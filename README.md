# Pong with named players — a Dafny model

This project models the game logic of a single-window Pong game. A player
first picks a saved name, deletes one, or chooses "New Name". On the
name-entry screen they type a name on a 26-key on-screen keyboard with SPACE,
BACKSPACE and Done. A three-second countdown then starts a session. A paddle
("bar") steered with LEFT and RIGHT keeps a ball in play, and the run ends
when the ball falls below the screen. The longest survival time and the name
of its holder form the best-time record. The game keeps up to five saved
player names.

The Dafny modules follow the program's parts:

- `Geometry`: the screen size and the rectangular `Button` with its
  open-rectangle click test.
- `Sprites`: the `Ball` and `Bar` classes and their per-tick `Update`. Both
  have the sizes the game gives them: a ball of diameter 20 and a bar of 80
  by 20.
- `Layout`: where every button of both menus lies. The lemmas prove which
  buttons can and cannot take the same press.
- `Players`: the saved-name list. It is changed by add-if-absent and
  delete-by-index, and it is written cut to five entries.
- `PongGame`: the `Game` window class and its event handlers (mouse press,
  tick, key press, key release). It also holds the functions that state what
  a press on each screen does, and the lemmas about them.

Coordinates and times are real numbers. The two files the game reads and
writes are modelled as follows:

- Reading: the contents arrive already parsed, as `Option` values given to
  the constructor. `None` stands for a file the game's loaders catch: a
  missing file or malformed content.
- Writing: each write is recorded as the last value written, in the fields
  `savedPlayers` and `savedBest`.

## Model

| member | source | states |
|---|---|---|
| Geometry.Button.IsClicked | game.py:30-31 | a press is a click only strictly inside the button's rectangle, so only a button of positive width and height can be clicked |
| Geometry.EdgeIsNotClick | game.py:30-31 | a press exactly on a button's border is not a click (the test uses strict inequalities) |
| Geometry.CentreIsClick | game.py:30-31 | a button of positive size is clicked at its centre |
| Geometry.ApartNeverBothClicked | game.py:30-31 | two buttons whose rectangles are separated on one axis never take the same press |
| Sprites.ClampBarX | game.py:62-67 | the bar's new centre always lies in [40, 760]; a centre already in range is kept |
| Sprites.ClampBarXIsNearest | game.py:63-67 | the clamped centre is the on-screen centre nearest to the moved position |
| Sprites.ClampBarXIdempotent | game.py:64-67 | clamping twice is clamping once |
| Sprites.Ball.constructor | game.py:35-39 | a new ball moves at 5 times the multiplier to the right and 5 times it downward |
| Sprites.Ball.Update | game.py:41-49 | the ball moves by its velocity; the horizontal velocity flips exactly when the ball touches a side wall and the vertical one exactly when it touches the top, both judged after the move; speeds are preserved |
| Sprites.Bar.constructor | game.py:53-57 | a new bar is at rest |
| Sprites.Bar.Update | game.py:62-67 | the bar moves by its velocity and is pushed back to the nearest on-screen place, so it ends wholly on screen; its velocity and height are unchanged |
| Layout.RowOf | game.py:97-102 | each key index falls in exactly one keyboard row |
| Layout.ColOf | game.py:99-102 | each key's column lies within its row |
| Layout.KeyboardButtons | game.py:93-102 | the keyboard has one key per letter of the three rows, 26 in all |
| Layout.RowStarts | game.py:10-14 | the three keyboard rows have 10, 9 and 7 letters, 26 keys in all |
| Layout.RowKeys | game.py:98-102 | a row has one key per letter of its row of the layout |
| Layout.KeysBefore | game.py:97-102 | the rows above row r hold RowStart(r) keys |
| Layout.RowKeysInKeyboard | game.py:97-102 | row r is the slice of the keyboard from RowStart(r) up to RowStart(r + 1) |
| Layout.KeysBeforeIsPrefix | game.py:97-102 | laying the rows out one after another gives the keyboard, so the rows above row r are its first RowStart(r) keys |
| Layout.KeyIndex | game.py:97-102 | the key for row r and column c is at index RowStart(r)+c, and that index maps back to (r, c) |
| Layout.KeyTypesItsLetter | game.py:102 | each key is labelled with exactly one capital letter, the one it types |
| Layout.KeysApart | game.py:98-102 | no two distinct keys take the same press |
| Layout.KeyBounds | game.py:95-102 | every key is a 40 by 40 square whose centre lies between heights 150 and 250 |
| Layout.ControlsApart | game.py:93-106 | no key shares a press with SPACE, BACKSPACE or Done, and those three never share a press with each other |
| Layout.RowsApart | game.py:213-218 | on the select screen, buttons of different rows never share a press, and a name never shares a press with its "X" |
| Layout.NewNameOnlyOverlapsFifthRow | game.py:213-222 | "New Name" shares presses with no "X" and with no name button except the fifth one |
| Players.RemoveAt | game.py:219 | deleting an entry shortens the list by exactly one |
| Players.RemoveAtShifts | game.py:219 | the names before entry i stay in place, the names after it move up by one, and exactly one occurrence of the deleted name is gone |
| Players.RemoveAtForgets | game.py:219 | in a list without duplicates, the deleted name is gone, every other name stays, and the list stays duplicate-free |
| Players.Remember | game.py:233-236 | the entered name is in the list afterwards, and the list is either the old list unchanged or the old list with the name in front |
| Players.RememberAddsOnlyTheName | game.py:233-236 | no name but the entered one is added; the list keeps its length exactly when the name was already in it; no duplicates are introduced |
| Players.Persisted | game.py:129-131 | the written list is the first min(n, 5) names, in order |
| Players.PersistedDistinct | game.py:129-131 | a duplicate-free list is written duplicate-free |
| Players.PersistedIdempotent | game.py:125-131 | writing back a list that was read from the file writes the same list |
| PongGame.SelectClick | game.py:212-223 | a press on the select screen picks or deletes only a name that is in the list |
| PongGame.SelectClickFrom | game.py:212-223 | the action chosen by a press names only a row that exists |
| PongGame.SelectClickFromIsFirstHit | game.py:212-223 | the action is taken from the first button hit, going through the rows in order, name before "X", with "New Name" last |
| PongGame.SelectClickIsFirstHit | game.py:212-223 | a name is picked (or deleted) exactly when its button (or its "X") is the first hit; "New Name" acts exactly when it is hit and no row is |
| PongGame.ClickOnNamePicksIt | game.py:213-217 | a press on a name's button picks that name |
| PongGame.ClickOnDeleteDeletesIt | game.py:218-221 | a press on a name's "X" deletes that name |
| PongGame.ClickOnNewName | game.py:222-223 | a press on "New Name" opens name entry, unless a fifth name row exists and its button takes the press |
| PongGame.FifthRowShadowsNewName | game.py:212-223 | with five or more names, part of "New Name" selects the fifth name instead |
| PongGame.DropLast | game.py:231-232 | BACKSPACE keeps a prefix one shorter than the name, and an empty name stays empty |
| PongGame.Typed | game.py:226-228 | one key's effect only extends the name, and changes it only when the name is under 15 characters, by appending the key's text |
| PongGame.TypeKeys | game.py:226-228 | going through all keys only extends the name |
| PongGame.EditNameOnBounds | game.py:226-232 | one press removes at most the name's last character and adds at most one character beyond what the keys typed; SPACE is applied before BACKSPACE, so a press on both leaves what the keys typed |
| PongGame.TypeKeysMiss | game.py:226-228 | when no key is hit, typing leaves the name unchanged |
| PongGame.TypeKeysSingle | game.py:226-228 | when exactly one key is hit, its text is added, subject to the 15-character cap |
| PongGame.TypeKeysCapped | game.py:226-228 | typing only extends the name, never past 15 characters, and never changes a name at or over the cap |
| PongGame.EditOnLetter | game.py:226-232 | a press on a letter key appends that letter if the name is shorter than 15, and otherwise leaves it unchanged |
| PongGame.EditOnSpace | game.py:229-230 | SPACE appends a space whatever the name's length |
| PongGame.EditOnBackspace | game.py:231-232 | BACKSPACE removes the last character |
| PongGame.EditElsewhere | game.py:226-232 | a press on no key, SPACE or BACKSPACE leaves the name unchanged |
| PongGame.SpaceOverrunsCap | game.py:227-230 | SPACE takes a 15-character name to 16 characters |
| PongGame.LettersStopAtCap | game.py:226-228 | after n letter presses, a name of at most 15 characters has min(length + n, 15) characters |
| PongGame.NewBest | game.py:255-258 | the new record time is the larger of the old record and the run's time; the holder changes only to the current player; the record changes only for a strictly longer run |
| PongGame.PaddleHit | game.py:251 | a bounce needs the ball's centre within the bar's width and its bottom at or below the bar's top |
| PongGame.PaddleHitIgnoresVelocity | game.py:251 | the bounce test looks only at positions, not at which way the ball moves, so a ball already moving up is bounced back down |
| PongGame.MoveBodies | game.py:248-252 | the ball and the bar move as their updates say; afterwards the ball's vertical velocity is reversed exactly when the ball is at or below the bar's top and its centre lies within the bar's width |
| PongGame.BuildKeys | game.py:94-102 | the outer loop produces exactly the keyboard layout, row after row |
| PongGame.BuildRow | game.py:98-102 | the inner loop produces exactly one row's keys, left to right, centred on the screen and one spacing apart |
| PongGame.StartBodies | game.py:135-140 | a fresh bar at (400, 120), at rest, and a fresh ball at (400, 300) moving at (5, -5) |
| PongGame.Game.constructor | game.py:71-91 | the game starts on the select screen with no session and an empty name; it takes the record and name list from the files, or 0 held by "None" and an empty list when a file is missing |
| PongGame.Game.CreateKeyboard | game.py:93-106 | the window's keys and its SPACE, BACKSPACE and Done buttons are the layout's |
| PongGame.Game.LoadBestTime | game.py:108-116 | a well-formed file sets the record; a missing file or malformed content gives 0 held by "None" |
| PongGame.Game.SaveBestTime | game.py:118-120 | the current record is what the best-time file receives |
| PongGame.Game.LoadPlayerData | game.py:122-127 | a well-formed file sets the name list; a missing file or malformed JSON gives the empty list |
| PongGame.Game.SavePlayerData | game.py:129-131 | the player file receives the first five names; the list in memory keeps all of them |
| PongGame.Game.SetupGame | game.py:133-144 | a fresh bar at (400, 120) and a fresh ball at (400, 300) moving at (5, -5); the clock is 0, the countdown 3, the state Countdown and the run not over; names and record are untouched |
| PongGame.Game.OnMousePress | game.py:211-237 | on the select screen the first button hit acts; on the entry screen the name is edited and Done with a non-empty name remembers it and starts a session; during play a press changes nothing; the record is never touched |
| PongGame.Game.PressOnSelectName | game.py:212-223 | the row loop performs exactly the first-hit action: picking a name starts a session with it; deleting removes it and saves the list; "New Name" opens name entry |
| PongGame.Game.PressOnEnterName | game.py:225-237 | the name becomes the edited name; Done with a non-empty name prepends it if absent (saving the list only then) and starts a session |
| PongGame.Game.AcceptName | game.py:233-237 | Done with a non-empty name: the list becomes Remember of the old list and is saved only if the name was new; a session starts; the record is untouched |
| PongGame.Game.EditPlayerName | game.py:226-232 | the key loop, then SPACE, then BACKSPACE, give the edited name |
| PongGame.Game.OnUpdate | game.py:239-259 | a countdown tick lowers the countdown and starts play exactly when it reaches 0 or less; a tick of live play runs the physics and the loss check; the name screens and a lost game are unchanged; the record time never goes down |
| PongGame.Game.PlayTick | game.py:245-259 | the clock runs by the tick and the bodies move; a lost ball sets the game-over flag and updates and saves the record as NewBest states |
| PongGame.Game.EndIfLost | game.py:254-259 | the run is over exactly when the ball's top is below 0; the record is then replaced, and saved, only by a longer run; otherwise it is untouched |
| PongGame.Game.OnKeyPress | game.py:261-267 | LEFT and RIGHT set the bar's velocity to -7 and 7; ENTER after a loss starts a fresh session; any other key changes nothing |
| PongGame.Game.OnKeyRelease | game.py:269-271 | releasing LEFT or RIGHT stops the bar; other keys change nothing |

## Left out

- Drawing (`draw`, `on_draw`, `draw_select_name`, `draw_name_input`), the textures, and the countdown digit shown on screen: these are presentation only.
- The arcade window, its event loop, and the `__main__` entry point: the handlers are modelled as methods a caller invokes.
- File I/O, JSON encoding, and parsing the "time by name" text, including how a name that contains " by " is split: the files are modelled as parsed `Option` values in and last-written values out.
- The two-decimal formatting of the saved time: the record is kept as an exact real.
- The debug `print` calls in `setup_game` and `on_draw`.
- I/O errors that the loaders do not catch: the best-time loader catches only a missing file, a non-number time and a missing " by " part, and the player loader only a missing file and malformed JSON. Any other failure, such as a permission error or a file that is not valid UTF-8, escapes the constructor and ends the program. The model has no such path: every file is either parsed or `None`.
- Floating-point rounding: coordinates and times are exact reals.
- Sprite geometry is fixed to the sizes the game uses (ball diameter 20, bar 80 by 20) rather than derived from textures.
- PongGame.Game.OnKeyPress: LEFT or RIGHT before the first session would dereference the missing bar, which crashes the program; the model requires a bar for those two keys instead.
- PongGame.Game.OnKeyRelease: the same missing-bar crash for LEFT or RIGHT is excluded by a precondition.
- PongGame.Game.EditPlayerName: the name is built in a local variable and assigned once, so intermediate states of the field are not observed; the result is the same.
- PongGame.BuildKeys: the keyboard is built in a local sequence and assigned to the field once, and the inner loop over a row is the separate method BuildRow; the buttons and their order are the same.
- PongGame.Game.OnUpdate and PongGame.Game.OnMousePress: their branches are split into helper methods (PlayTick, MoveBodies, EndIfLost, PressOnSelectName, PressOnEnterName, AcceptName), each with its own contract; the order of the steps is the source's.
