# Swiper review card: a Dafny model

This project models the core of the Swiper note-review plugin. The plugin
shows one markdown note from the vault's `0 Inbox` folder in a card, and the
user drags the card sideways. The model covers three parts:

- **The drag gesture of the `Note` card.** The card keeps a drag session in
  three nullable fields (`xStart`, `yStart`, `dragStart`). The user sees three
  things on the card's display element:
  - the `data-action` marker (`NONE`, `LEFT` or `RIGHT`);
  - the `--swipe-amount` CSS property, in pixels;
  - the `--rotation-amount` CSS property, in degrees.

  Pointer-down, pointer-move, pointer-up and pointer-leave are each a pure
  transition `NoteCard.Step` over the card. `NoteCard.Run` plays a sequence of
  events.
- **Direction classification** (module `Gesture`). A move picks a direction
  when `|dx| >= 100` or the speed `|dx| / t` exceeds `0.11` px/ms. `RIGHT` or
  `LEFT` follows the sign of `dx`. The speed test is written without division.
  The lemma `Gesture.VelocityTestMatchesJsDivision` proves it agrees with
  JavaScript's division, where `x / 0` is `Infinity` and `0 / 0` is `NaN`.
- **Review-note selection and view opening** (modules `ReviewSelection` and
  `SwiperView`). A note is kept when two tests pass:
  - its path is `0 Inbox` or starts with `0 Inbox/`;
  - its tag list is present and its `some` callback is truthy for some tag.

  The first note that survives is bound to a freshly mounted card. When none
  survives, no card is mounted.
- **Settings loading** (module `Settings`). `Object.assign({}, DEFAULT_SETTINGS, loaded)`
  is modelled as a map union in which a loaded property wins over the default.

Time (`new Date().getTime()`) and pointer coordinates are parameters of the
events. JavaScript numbers are modelled as `real` for coordinates and
displacements and as `int` for millisecond timestamps. JavaScript truthiness
of a session field means "set and not zero". So after a pointer-down at
x = 0, at y = 0 or at time 0, every move is ignored.

This version of the card is not yet a swipe-to-archive card. The model keeps
to what the code does:

- pointer-up commits nothing and never reads the marker;
- there are no left/right/double-click callbacks and no queue advancement;
- the note setter replaces the text but does not rebuild the surface;
- the folder is the literal `0 Inbox`;
- the tag callback `(tag) => "review"` never inspects the tag. Any note with
  at least one tag passes, not only notes tagged `#review`
  (`ReviewSelection.TagTestIgnoresTagValues`).

## Model

| member | source | states |
|---|---|---|
| Gesture.Classify | src/main.ts:164-175 | RIGHT only when dx > 0 and LEFT only when dx < 0. NONE exactly when neither the distance test nor the velocity test fires. A distance of at least 100 always picks a direction, and dx = 0 never does |
| Gesture.VelocityTestMatchesJsDivision | src/main.ts:157-166 | The division-free speed test agrees with `Math.abs(dx) / t > 0.11` under JavaScript division, for every dx and every elapsed time t, including t = 0 (Infinity or NaN) and t < 0 |
| Gesture.DegenerateElapsedTime | src/main.ts:157-158 | At t = 0 the marker is NONE exactly when dx = 0. At t < 0 it is NONE exactly when abs(dx) < 100 |
| Gesture.DistanceAloneDecides | src/main.ts:164-172 | With abs(dx) >= 100 the marker is the sign of dx, for any elapsed time |
| Gesture.VelocityAloneDecides | src/main.ts:164-175 | The OR rule: dx = 50 at t = 100 gives RIGHT, dx = -50 gives LEFT, dx = 5 gives NONE |
| Gesture.Rotation | src/main.ts:159-162 | The rotation has the sign of dx, is zero exactly when dx is, and is no larger in magnitude than dx |
| NoteCard.Feedback | src/main.ts:156-175 | A move's surface: swipe amount is dx, rotation follows the sign of dx, and the marker agrees with the sign of dx and with the trigger rule |
| NoteCard.Mount | src/main.ts:138-145 | A mounted card is bound to its note, has all three session fields cleared, and shows marker NONE with neither CSS property set |
| NoteCard.Release | src/main.ts:177-192 | Release sets all three session fields to null, leaves marker NONE with 0px and 0deg, and keeps the bound note |
| NoteCard.Step | src/main.ts:146-192 | No pointer event rebinds the note. Every event keeps the session fields all set or all cleared |
| NoteCard.Run | src/main.ts:146-192 | No sequence of pointer events rebinds the note |
| NoteCard.IdleMoveIsNoop | src/main.ts:151-154 | A move changes nothing unless xStart, yStart and dragStart are all truthy |
| NoteCard.ArmedMoveWritesFeedback | src/main.ts:156-175 | An armed move keeps the session. It writes marker, swipe and rotation from the displacement and time since pointer-down only, not from the previous surface |
| NoteCard.DownRecordsOrigin | src/main.ts:146-150 | Pointer-down records origin and start time and leaves the surface alone. The card is armed exactly when x, y and the time are all nonzero |
| NoteCard.DownAtZeroDisarms | src/main.ts:146-154 | After a pointer-down at x = 0, y = 0 or time 0, the next move is a no-op |
| NoteCard.UpAndLeaveReset | src/main.ts:177-192 | Pointer-up and pointer-leave are the same transition. From any card both give an idle session, marker NONE, 0px and 0deg, and the same note |
| NoteCard.MoveAfterReleaseIsNoop | src/main.ts:151-192 | After pointer-up or pointer-leave, a move changes nothing |
| NoteCard.RunKeepsConsistency | src/main.ts:146-192 | Over any event sequence the three session fields stay all set or all cleared |
| NoteCard.DisarmedMovesAreNoops | src/main.ts:151-154 | Any number of moves on a disarmed card leave it unchanged |
| NoteCard.LastMoveDecides | src/main.ts:151-176 | During a drag, moves never change the session. The surface is what the most recent move computes from the pointer-down origin; earlier moves leave no trace |
| NoteCard.EndsWithReleaseIsNeutral | src/main.ts:177-192 | Any event sequence ending in pointer-up or pointer-leave leaves an idle card with a neutral surface |
| NoteCard.DragSessionOutcome | src/main.ts:146-192 | After pointer-down at a nonzero point and time followed by moves, the marker classifies the last move's dx and elapsed time, and the swipe amount is that dx. A following pointer-up resets the card |
| NoteCard.SwipeRightScenario | src/main.ts:146-192 | From a fresh card, a 150 px drag in 120 ms shows RIGHT, 150px and 7.5deg, and pointer-up resets the card |
| ReviewSelection.Filter | src/main.ts:218-227 | The filter result keeps only elements that pass, and every passing element of the input appears in it |
| ReviewSelection.FilterKeepsMultiplicity | src/main.ts:218-227 | Every passing element appears in the result exactly as many times as in the input, and no failing one appears |
| ReviewSelection.FilterAppend | src/main.ts:218-227 | Filtering a concatenation is the concatenation of the filtered parts, so the result keeps the input order |
| ReviewSelection.InFolderIsFolderOrDescendant | src/main.ts:217-223 | A path passes the folder test exactly when it is `0 Inbox` or `0 Inbox/` followed by anything |
| ReviewSelection.SiblingFolderExcluded | src/main.ts:219-223 | A path that starts with `0 Inbox` followed by a character other than `/` is rejected |
| ReviewSelection.FolderExamples | src/main.ts:217-223 | `0 Inbox` and `0 Inbox/a/b.md` pass. `0 Inboxes/x.md` and `x/0 Inbox/y.md` do not |
| ReviewSelection.TagTestIgnoresTagValues | src/main.ts:224-227 | The tag test holds exactly when a tag list exists and is non-empty, whatever the tags are |
| ReviewSelection.FilterTwiceIsFilterBoth | src/main.ts:218-227 | Filtering twice in a row equals filtering once by both tests, order kept |
| ReviewSelection.ReviewNotesIsOneFilter | src/main.ts:216-227 | The review list is the file list filtered by folder-and-tag, order kept. A note is in it exactly when it is a file that passes both tests |
| ReviewSelection.SelectReviewNote | src/main.ts:229-234 | Nothing is selected exactly when no file passes both tests. Otherwise the selection is a file that passes both |
| ReviewSelection.SelectIsFirstSurvivor | src/main.ts:229-234 | The selected note is the first file, in vault order, that passes both tests |
| SwiperView.OpenView | src/main.ts:216-235 | No card is mounted exactly when no file passes both tests. Otherwise the card is bound to a passing file, is idle, and has a freshly mounted surface |
| SwiperView.OpensOnFirstSurvivor | src/main.ts:216-235 | The mounted card is bound to the first file, in vault order, that passes both tests (`reviewNotes[0]`) |
| SwiperView.OpensOnFirstOfTwo | src/main.ts:216-235 | With two review notes A and B, the view opens a fresh card on A |
| Settings.LoadSettings | src/main.ts:97-103 | `mySetting` is always present. With nothing stored the result is the defaults. Otherwise the keys are the union, stored values win, and defaults fill the rest |
| Settings.MySettingValue | src/settings.ts:8-10 | `mySetting` is the stored value when one was stored, and "default" otherwise |
| Settings.SaveThenLoad | src/main.ts:97-107 | Loading settings that were saved after a load gives the same settings |

## Left out

- Plugin lifecycle, ribbon icon, view registration and workspace leaves (src/main.ts:18-95, 196-214, 238-240): these are host-platform plumbing with no logic of their own.
- DOM creation and listener registration (src/main.ts:138-146): the model replaces them with a surface record and the `Step` dispatch.
- Vault reads: the text `mount` reads and the note setter with its swallowed failure (src/main.ts:127-140). They are asynchronous foreign calls, and the setter touches neither the session nor the surface. `SwiperView.OpenView` assumes the read in `mount` succeeds: when it fails, `onOpen` rejects before the display element or any handler exists, and no card appears.
- The metadata cache lookup (src/main.ts:225): the tag list is an input field of each file.
- The settings tab and `saveData` persistence (src/settings.ts:12-36, src/main.ts:105-107). `SaveThenLoad` assumes storage returns what was saved.
- Settings.LoadSettings: stored values are JSON scalars only; nested objects and arrays are not modelled because no recognised setting uses them.
- IEEE-754 rounding: all arithmetic is exact `real`. Only the `t == 0` Infinity and NaN outcomes of the velocity division are reproduced.
- The `${dx}px` and `${rotation}deg` strings: only the numbers are modelled.
- The `console.error` on an empty review list (src/main.ts:230): it is a diagnostic with no effect on state.
