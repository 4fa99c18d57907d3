/** The game controller: a window that walks through name selection, name
    entry, a countdown and play, driven by mouse presses, ticks and keys. */
module PongGame {
  import opened Geometry
  import opened Sprites
  import opened Layout
  import opened Players

  datatype Option<T> = None | Some(value: T)

  /** The screen being shown. Losing does not leave Playing: it only sets the
      game-over flag kept beside the state. */
  datatype State = SelectName | EnterName | Countdown | Playing

  /** The keys the game reacts to; every other key is OtherKey. */
  datatype Key = LeftKey | RightKey | EnterKey | OtherKey

  /** The best-time record: the longest survival and who achieved it. */
  datatype BestRecord = BestRecord(time: real, holder: string)

  const MaxNameLength: nat := 15
  const PaddleSpeed: real := 7.0
  const CountdownStart: real := 3.0

  // ---------------------------------------------------------------------
  // Name selection

  /** What a press on the select screen does. */
  datatype SelectAction = PickName(index: nat) | DeleteName(index: nat) | NewName | Miss

  /** The rows from i on are tried in order, the name before its "X", and
      "New Name" only after the last row; the first button hit wins. */
  function SelectClickFrom(names: seq<string>, x: real, y: real, i: nat): (t: SelectAction)
    ensures t.PickName? || t.DeleteName? ==> i <= t.index < |names|
    decreases |names| - i
  {
    if i >= |names| then
      (if NewNameButton().IsClicked(x, y) then NewName else Miss)
    else if NameButton(i, names[i]).IsClicked(x, y) then PickName(i)
    else if DeleteButton(i).IsClicked(x, y) then DeleteName(i)
    else SelectClickFrom(names, x, y, i + 1)
  }

  /** What a press on the select screen does, trying every row. */
  function SelectClick(names: seq<string>, x: real, y: real): (t: SelectAction)
    ensures t.PickName? || t.DeleteName? ==> t.index < |names|
  {
    SelectClickFrom(names, x, y, 0)
  }

  /** Row j of the select screen takes the press. */
  predicate RowHit(names: seq<string>, j: nat, x: real, y: real)
    requires j < |names|
  {
    NameButton(j, names[j]).IsClicked(x, y) || DeleteButton(j).IsClicked(x, y)
  }

  /** No row from `from` up to (not including) `to` takes the press. */
  predicate NoRowHit(names: seq<string>, from: nat, to: nat, x: real, y: real)
    requires to <= |names|
  {
    forall j :: from <= j < to ==> !RowHit(names, j, x, y)
  }

  lemma {:induction false} SelectClickFromIsFirstHit(names: seq<string>, x: real, y: real, i: nat)
    requires i <= |names|
    ensures var t := SelectClickFrom(names, x, y, i);
      (t.PickName? ==> NameButton(t.index, names[t.index]).IsClicked(x, y)
                       && NoRowHit(names, i, t.index, x, y)) &&
      (t.DeleteName? ==> !NameButton(t.index, names[t.index]).IsClicked(x, y)
                         && DeleteButton(t.index).IsClicked(x, y)
                         && NoRowHit(names, i, t.index, x, y)) &&
      (t.NewName? ==> NewNameButton().IsClicked(x, y) && NoRowHit(names, i, |names|, x, y)) &&
      (t.Miss? ==> !NewNameButton().IsClicked(x, y) && NoRowHit(names, i, |names|, x, y))
    decreases |names| - i
  {
    if i < |names| && !RowHit(names, i, x, y) {
      SelectClickFromIsFirstHit(names, x, y, i + 1);
    }
  }

  /** The select screen's press, stated without the loop: a name is picked,
      or deleted, exactly when its button is the first one hit, and "New Name"
      is reached only when no row is hit at all. */
  lemma SelectClickIsFirstHit(names: seq<string>, x: real, y: real, k: nat)
    ensures SelectClick(names, x, y) == PickName(k) <==>
      k < |names| && NameButton(k, names[k]).IsClicked(x, y) && NoRowHit(names, 0, k, x, y)
    ensures SelectClick(names, x, y) == DeleteName(k) <==>
      k < |names| && !NameButton(k, names[k]).IsClicked(x, y) && DeleteButton(k).IsClicked(x, y)
      && NoRowHit(names, 0, k, x, y)
    ensures SelectClick(names, x, y) == NewName <==>
      NewNameButton().IsClicked(x, y) && NoRowHit(names, 0, |names|, x, y)
  {
    SelectClickFromIsFirstHit(names, x, y, 0);
    var t := SelectClick(names, x, y);
    if t.PickName? || t.DeleteName? {
      assert RowHit(names, t.index, x, y);
    }
    if k < |names| && (NameButton(k, names[k]).IsClicked(x, y) || DeleteButton(k).IsClicked(x, y)) {
      assert RowHit(names, k, x, y);
    }
  }

  /** A press on a name's button picks that name. */
  lemma ClickOnNamePicksIt(names: seq<string>, k: nat, x: real, y: real)
    requires k < |names| && NameButton(k, names[k]).IsClicked(x, y)
    ensures SelectClick(names, x, y) == PickName(k)
  {
    forall j | 0 <= j < k
      ensures !RowHit(names, j, x, y)
    {
      RowsApart(j, k, names[j], names[k]);
      RowsApart(k, j, names[k], names[j]);
      ApartNeverBothClicked(NameButton(j, names[j]), NameButton(k, names[k]), x, y);
      ApartNeverBothClicked(NameButton(k, names[k]), DeleteButton(j), x, y);
    }
    SelectClickIsFirstHit(names, x, y, k);
  }

  /** A press on a name's "X" deletes exactly that name. */
  lemma ClickOnDeleteDeletesIt(names: seq<string>, k: nat, x: real, y: real)
    requires k < |names| && DeleteButton(k).IsClicked(x, y)
    ensures SelectClick(names, x, y) == DeleteName(k)
  {
    forall j | 0 <= j < k
      ensures !RowHit(names, j, x, y)
    {
      RowsApart(j, k, names[j], names[k]);
      ApartNeverBothClicked(NameButton(j, names[j]), DeleteButton(k), x, y);
      ApartNeverBothClicked(DeleteButton(j), DeleteButton(k), x, y);
    }
    RowsApart(k, k, names[k], names[k]);
    ApartNeverBothClicked(NameButton(k, names[k]), DeleteButton(k), x, y);
    SelectClickIsFirstHit(names, x, y, k);
  }

  /** A press on "New Name" opens name entry, unless a fifth saved name exists
      and its button, which overlaps "New Name", takes the press first. */
  lemma ClickOnNewName(names: seq<string>, x: real, y: real)
    requires NewNameButton().IsClicked(x, y)
    ensures SelectClick(names, x, y) == NewName <==>
      !(|names| > 4 && NameButton(4, names[4]).IsClicked(x, y))
  {
    if |names| > 4 && NameButton(4, names[4]).IsClicked(x, y) {
      ClickOnNamePicksIt(names, 4, x, y);
    } else {
      forall j | 0 <= j < |names|
        ensures !RowHit(names, j, x, y)
      {
        NewNameOnlyOverlapsFifthRow(j, names[j]);
        ApartNeverBothClicked(DeleteButton(j), NewNameButton(), x, y);
        if j != 4 {
          ApartNeverBothClicked(NameButton(j, names[j]), NewNameButton(), x, y);
        }
      }
      SelectClickIsFirstHit(names, x, y, 0);
    }
  }

  /** With five or more saved names, the part of "New Name" under the fifth
      name row selects that name instead. */
  lemma FifthRowShadowsNewName(names: seq<string>, x: real, y: real)
    requires |names| >= 5
    requires 300.0 < x < 400.0 && 180.0 < y < 220.0
    ensures NewNameButton().IsClicked(x, y)
    ensures SelectClick(names, x, y) == PickName(4)
  {
    ClickOnNamePicksIt(names, 4, x, y);
  }

  // ---------------------------------------------------------------------
  // Name entry

  /** A key's text is added only while the name is shorter than the cap. */
  function Typed(name: string, text: string): (r: string)
    ensures name <= r
    ensures r != name ==> |name| < MaxNameLength && r == name + text
  {
    if |name| < MaxNameLength then name + text else name
  }

  /** The name after the keys are tried in order against one press. */
  function TypeKeys(name: string, keys: seq<Button>, x: real, y: real): (r: string)
    ensures name <= r
    decreases |keys|
  {
    if keys == [] then name
    else TypeKeys(if keys[0].IsClicked(x, y) then Typed(name, keys[0].text) else name, keys[1..], x, y)
  }

  /** The name without its last character; an empty name stays empty. */
  function DropLast(s: string): (r: string)
    ensures r <= s
    ensures |r| == if s == [] then 0 else |s| - 1
  {
    if s == [] then s else s[..|s| - 1]
  }

  /** The name after one press on the name-entry screen: keys, then SPACE,
      then BACKSPACE. SPACE does not look at the cap. */
  function EditName(name: string, x: real, y: real): string
  {
    EditNameOn(name, KeyboardButtons(), SpaceButton(), BackspaceButton(), x, y)
  }

  /** The same, for any keys and SPACE and BACKSPACE buttons. */
  function EditNameOn(name: string, keys: seq<Button>, space: Button, backspace: Button, x: real, y: real): string
  {
    var typed := TypeKeys(name, keys, x, y);
    var spaced := if space.IsClicked(x, y) then typed + " " else typed;
    if backspace.IsClicked(x, y) then DropLast(spaced) else spaced
  }

  /** One press can take away at most the last character of the name and
      adds at most one character to what the keys typed; a press that hits
      both SPACE and BACKSPACE cancels out, because SPACE comes first. */
  lemma EditNameOnBounds(name: string, keys: seq<Button>, space: Button, backspace: Button, x: real, y: real)
    ensures DropLast(name) <= EditNameOn(name, keys, space, backspace, x, y)
    ensures |EditNameOn(name, keys, space, backspace, x, y)| <= |TypeKeys(name, keys, x, y)| + 1
    ensures space.IsClicked(x, y) && backspace.IsClicked(x, y) ==>
      EditNameOn(name, keys, space, backspace, x, y) == TypeKeys(name, keys, x, y)
  {
  }

  lemma {:induction false} TypeKeysMiss(name: string, keys: seq<Button>, x: real, y: real)
    requires forall j :: 0 <= j < |keys| ==> !keys[j].IsClicked(x, y)
    ensures TypeKeys(name, keys, x, y) == name
    decreases |keys|
  {
    if keys != [] {
      TypeKeysMiss(name, keys[1..], x, y);
    }
  }

  /** When only key k takes the press, the name gets k's text, under the cap. */
  lemma {:induction false} TypeKeysSingle(name: string, keys: seq<Button>, k: nat, x: real, y: real)
    requires k < |keys| && keys[k].IsClicked(x, y)
    requires forall j :: 0 <= j < |keys| && j != k ==> !keys[j].IsClicked(x, y)
    ensures TypeKeys(name, keys, x, y) == Typed(name, keys[k].text)
    decreases |keys|
  {
    if k == 0 {
      TypeKeysMiss(Typed(name, keys[0].text), keys[1..], x, y);
    } else {
      TypeKeysSingle(name, keys[1..], k - 1, x, y);
    }
  }

  /** With one-letter keys, typing never takes a name past the cap, never
      shortens it, and leaves a name at or over the cap alone. */
  lemma {:induction false} TypeKeysCapped(name: string, keys: seq<Button>, x: real, y: real)
    requires forall j :: 0 <= j < |keys| ==> |keys[j].text| == 1
    ensures |name| <= MaxNameLength ==> |TypeKeys(name, keys, x, y)| <= MaxNameLength
    ensures |name| >= MaxNameLength ==> TypeKeys(name, keys, x, y) == name
    ensures name <= TypeKeys(name, keys, x, y)
    decreases |keys|
  {
    if keys != [] {
      var next := if keys[0].IsClicked(x, y) then Typed(name, keys[0].text) else name;
      assert |keys[0].text| == 1;
      TypeKeysCapped(next, keys[1..], x, y);
    }
  }

  /** The press lands on some key of the keyboard. */
  predicate OnKeyboard(x: real, y: real)
  {
    exists k :: 0 <= k < KeyCount && KeyboardButtons()[k].IsClicked(x, y)
  }

  /** A letter key adds its letter, but only to a name under 15 characters. */
  lemma EditOnLetter(name: string, k: nat, x: real, y: real)
    requires k < KeyCount && KeyboardButtons()[k].IsClicked(x, y)
    ensures EditName(name, x, y) == Typed(name, [Letter(k)])
  {
    var keys := KeyboardButtons();
    forall j | 0 <= j < |keys| && j != k
      ensures !keys[j].IsClicked(x, y)
    {
      KeysApart(j, k);
      ApartNeverBothClicked(keys[j], keys[k], x, y);
    }
    TypeKeysSingle(name, keys, k, x, y);
    KeyTypesItsLetter(k);
    ControlsApart(k);
    ApartNeverBothClicked(keys[k], SpaceButton(), x, y);
    ApartNeverBothClicked(keys[k], BackspaceButton(), x, y);
  }

  /** SPACE always adds a space, whatever the length of the name. */
  lemma EditOnSpace(name: string, x: real, y: real)
    requires SpaceButton().IsClicked(x, y)
    ensures EditName(name, x, y) == name + " "
  {
    var keys := KeyboardButtons();
    forall j | 0 <= j < |keys|
      ensures !keys[j].IsClicked(x, y)
    {
      ControlsApart(j);
      ApartNeverBothClicked(keys[j], SpaceButton(), x, y);
    }
    TypeKeysMiss(name, keys, x, y);
    ControlsApart(0);
    ApartNeverBothClicked(SpaceButton(), BackspaceButton(), x, y);
  }

  /** BACKSPACE drops the last character and leaves an empty name empty. */
  lemma EditOnBackspace(name: string, x: real, y: real)
    requires BackspaceButton().IsClicked(x, y)
    ensures EditName(name, x, y) == DropLast(name)
  {
    var keys := KeyboardButtons();
    forall j | 0 <= j < |keys|
      ensures !keys[j].IsClicked(x, y)
    {
      ControlsApart(j);
      ApartNeverBothClicked(keys[j], BackspaceButton(), x, y);
    }
    TypeKeysMiss(name, keys, x, y);
    ControlsApart(0);
    ApartNeverBothClicked(SpaceButton(), BackspaceButton(), x, y);
  }

  /** A press on no key, SPACE or BACKSPACE leaves the name as it was. */
  lemma EditElsewhere(name: string, x: real, y: real)
    requires !OnKeyboard(x, y)
    requires !SpaceButton().IsClicked(x, y) && !BackspaceButton().IsClicked(x, y)
    ensures EditName(name, x, y) == name
  {
    TypeKeysMiss(name, KeyboardButtons(), x, y);
  }

  /** A name of 15 characters grows to 16 with a press on SPACE. */
  lemma SpaceOverrunsCap(name: string)
    requires |name| == MaxNameLength
    ensures |EditName(name, ScreenWidth / 2.0, SpaceButton().y)| == MaxNameLength + 1
  {
    EditOnSpace(name, ScreenWidth / 2.0, SpaceButton().y);
  }

  /** The name after a run of presses on the name-entry screen. */
  function EditAll(name: string, presses: seq<(real, real)>): string
    decreases |presses|
  {
    if presses == [] then name else EditAll(EditName(name, presses[0].0, presses[0].1), presses[1..])
  }

  /** Pressing letter keys n times on a name of at most 15 characters gives a
      name of min(length + n, 15) characters: the 16th letter is ignored. */
  lemma {:induction false} LettersStopAtCap(name: string, presses: seq<(real, real)>)
    requires |name| <= MaxNameLength
    requires forall i :: 0 <= i < |presses| ==> OnKeyboard(presses[i].0, presses[i].1)
    ensures |EditAll(name, presses)| ==
      if |name| + |presses| < MaxNameLength then |name| + |presses| else MaxNameLength
    decreases |presses|
  {
    if presses != [] {
      var x, y := presses[0].0, presses[0].1;
      assert OnKeyboard(x, y);
      var k :| 0 <= k < KeyCount && KeyboardButtons()[k].IsClicked(x, y);
      EditOnLetter(name, k, x, y);
      var next := EditName(name, x, y);
      assert |next| == if |name| < MaxNameLength then |name| + 1 else |name|;
      var rest := presses[1..];
      assert forall i :: 0 <= i < |rest| ==> rest[i] == presses[i + 1];
      LettersStopAtCap(next, rest);
    }
  }

  // ---------------------------------------------------------------------
  // Play

  /** The new best-time record after a lost run: replaced only by a strictly
      longer survival, so it is the longer of the two. */
  function NewBest(best: BestRecord, elapsed: real, player: string): (r: BestRecord)
    ensures r.time == Max(best.time, elapsed)
    ensures r.time >= best.time
    ensures r.holder == player || r == best
    ensures r != best ==> elapsed > best.time
  {
    if elapsed > best.time then BestRecord(elapsed, player) else best
  }

  /** The ball is at or below the bar's top and its centre within the bar's
      width. The direction the ball moves in is not looked at. */
  predicate PaddleHit(ball: Ball, bar: Bar)
    reads ball, bar
    ensures PaddleHit(ball, bar) ==> Abs(ball.centerX - bar.centerX) <= BarWidth / 2.0
    ensures PaddleHit(ball, bar) ==> ball.centerY <= bar.centerY + (BarHeight / 2.0 + BallRadius)
  {
    ball.Bottom() <= bar.Top() && bar.Left() <= ball.centerX <= bar.Right()
  }

  /** Whether the ball bounces off the bar depends only on where the two are,
      not on which way the ball moves: a ball rising inside the bar's zone is
      turned just like a falling one. */
  lemma PaddleHitIgnoresVelocity(b1: Ball, b2: Ball, bar: Bar)
    requires b1.centerX == b2.centerX && b1.centerY == b2.centerY
    ensures PaddleHit(b1, bar) <==> PaddleHit(b2, bar)
  {
  }

  /** The bodies' part of a tick of play: both move, then a ball at or below
      the top of the bar and within its width turns back upwards (or
      downwards, if the top wall has just turned it). */
  method MoveBodies(ball: Ball, bar: Bar)
    modifies ball, bar
    ensures ball.centerX == old(ball.centerX) + old(ball.changeX)
    ensures ball.centerY == old(ball.centerY) + old(ball.changeY)
    ensures ball.changeX == (if ball.Left() <= 0.0 || ball.Right() >= ScreenWidth then -old(ball.changeX) else old(ball.changeX))
    ensures var wallY := if ball.Top() >= ScreenHeight then -old(ball.changeY) else old(ball.changeY);
      ball.changeY == if PaddleHit(ball, bar) then -wallY else wallY
    ensures bar.centerX == ClampBarX(old(bar.centerX) + old(bar.changeX))
    ensures bar.centerY == old(bar.centerY) && bar.changeX == old(bar.changeX)
  {
    ball.Update();
    bar.Update();
    if ball.Bottom() <= bar.Top() && bar.Left() <= ball.centerX <= bar.Right() {
      ball.changeY := ball.changeY * -1.0;
    }
  }

  /** The bar and the ball of a new session, in their start places. */
  method StartBodies() returns (bar: Bar, ball: Ball)
    ensures fresh(bar) && fresh(ball)
    ensures bar.centerX == ScreenWidth / 2.0 && bar.centerY == ScreenHeight / 5.0 && bar.changeX == 0.0
    ensures ball.centerX == ScreenWidth / 2.0 && ball.centerY == ScreenHeight / 2.0
    ensures ball.changeX == 5.0 && ball.changeY == -5.0
  {
    bar := new Bar();
    bar.centerX := ScreenWidth / 2.0;
    bar.centerY := ScreenHeight / 5.0;
    ball := new Ball(1.0);
    ball.centerX := ScreenWidth / 2.0;
    ball.centerY := ScreenHeight / 2.0;
  }

  /** The letter keys of the on-screen keyboard, built row by row. */
  method BuildKeys() returns (keys: seq<Button>)
    ensures keys == KeyboardButtons()
  {
    keys := [];
    for row := 0 to |KeyboardLayout|
      invariant keys == KeysBefore(row)
    {
      var rowKeys := BuildRow(row);
      keys := keys + rowKeys;
    }
    KeysBeforeIsPrefix(|KeyboardLayout|);
  }

  /** The keys of one row, left to right: the row is centred on the screen,
      the keys one spacing apart, each labelled by its letter. */
  method BuildRow(row: nat) returns (keys: seq<Button>)
    requires row < |KeyboardLayout|
    ensures keys == RowKeys(row)
  {
    keys := [];
    var letters := KeyboardLayout[row];
    var startX := ScreenWidth / 2.0 - |letters| as real * KeySpacing / 2.0 + KeySpacing / 2.0;
    for col := 0 to |letters|
      invariant keys == RowKeys(row)[..col]
    {
      var x := startX + col as real * KeySpacing;
      var y := KeyboardTop - row as real * KeySpacing;
      var key := Button(x, y, KeySize, KeySize, [letters[col]]);
      assert RowKeys(row)[..col + 1] == RowKeys(row)[..col] + [key];
      keys := keys + [key];
    }
    assert RowKeys(row)[..|letters|] == RowKeys(row);
  }

  // ---------------------------------------------------------------------
  // The window

  class Game {
    var playerName: string
    var playerList: seq<string>
    var keyboard: seq<Button>
    var spaceButton: Button
    var backspaceButton: Button
    var doneButton: Button

    var bar: Bar?
    var ball: Ball?
    var timeElapsed: real
    var bestTime: real
    var bestPlayer: string
    var state: State
    var countdown: real
    var gameOver: bool

    /** The last list written to the player file in this run, if any. */
    var savedPlayers: Option<seq<string>>
    /** The last record written to the best-time file in this run, if any. */
    var savedBest: Option<BestRecord>

    ghost predicate Valid()
      reads this
    {
      (bar == null <==> ball == null) &&
      (state == Countdown || state == Playing ==> bar != null) &&
      (gameOver ==> state == Playing) &&
      (state == Countdown ==> countdown > 0.0) &&
      keyboard == KeyboardButtons() &&
      spaceButton == SpaceButton() && backspaceButton == BackspaceButton() && doneButton == DoneButton()
    }

    /** The state right after a session is set up. */
    ghost predicate NewSession()
      reads this, bar, ball
    {
      bar != null && ball != null &&
      bar.centerX == ScreenWidth / 2.0 && bar.centerY == ScreenHeight / 5.0 && bar.changeX == 0.0 &&
      ball.centerX == ScreenWidth / 2.0 && ball.centerY == ScreenHeight / 2.0 &&
      ball.changeX == 5.0 && ball.changeY == -5.0 &&
      timeElapsed == 0.0 && countdown == CountdownStart && state == Countdown && !gameOver
    }

    twostate predicate RecordsKept()
      reads this
    {
      bestTime == old(bestTime) && bestPlayer == old(bestPlayer) && savedBest == old(savedBest)
    }

    twostate predicate PlayersKept()
      reads this
    {
      playerName == old(playerName) && playerList == old(playerList) && savedPlayers == old(savedPlayers)
    }

    twostate predicate SessionKept()
      reads this
    {
      bar == old(bar) && ball == old(ball) && timeElapsed == old(timeElapsed) &&
      countdown == old(countdown) && gameOver == old(gameOver)
    }

    /** Starts on the select screen. The files' contents come in already
        parsed: None stands for a missing file or malformed content. */
    constructor (bestFile: Option<BestRecord>, playerFile: Option<seq<string>>)
      ensures Valid()
      ensures state == SelectName && playerName == [] && !gameOver
      ensures bar == null && ball == null && timeElapsed == 0.0 && countdown == CountdownStart
      ensures bestTime == (if bestFile.Some? then bestFile.value.time else 0.0)
      ensures bestPlayer == (if bestFile.Some? then bestFile.value.holder else "None")
      ensures playerList == (if playerFile.Some? then playerFile.value else [])
      ensures savedPlayers == None && savedBest == None
    {
      playerName := "";
      playerList := [];
      keyboard := [];
      bar, ball := null, null;
      timeElapsed := 0.0;
      bestTime, bestPlayer := 0.0, "None";
      state := SelectName;
      countdown := CountdownStart;
      gameOver := false;
      savedPlayers, savedBest := None, None;
      new;
      LoadBestTime(bestFile);
      LoadPlayerData(playerFile);
      CreateKeyboard();
    }

    /** Lays out the 26 letter keys row by row, then SPACE, BACKSPACE, Done. */
    method CreateKeyboard()
      modifies this`keyboard, this`spaceButton, this`backspaceButton, this`doneButton
      ensures keyboard == KeyboardButtons()
      ensures spaceButton == SpaceButton() && backspaceButton == BackspaceButton() && doneButton == DoneButton()
    {
      keyboard := BuildKeys();
      var startY := ScreenHeight / 2.0 - 50.0;
      var keySpacing := 50.0;
      spaceButton := Button(ScreenWidth / 2.0, startY - |KeyboardLayout| as real * keySpacing - 20.0, 200.0, 40.0, "SPACE");
      backspaceButton := Button(ScreenWidth / 2.0, startY - |KeyboardLayout| as real * keySpacing - 70.0, 200.0, 40.0, "BACKSPACE");
      doneButton := Button(ScreenWidth / 2.0 + 200.0, ScreenHeight / 2.0 + 50.0, 100.0, 40.0, "Done");
    }

    /** A missing file or malformed content gives a best time of 0 held by "None". */
    method LoadBestTime(file: Option<BestRecord>)
      modifies this`bestTime, this`bestPlayer
      ensures bestTime == (if file.Some? then file.value.time else 0.0)
      ensures bestPlayer == (if file.Some? then file.value.holder else "None")
    {
      match file
      case Some(record) =>
        bestTime := record.time;
        bestPlayer := record.holder;
      case None =>
        bestTime := 0.0;
        bestPlayer := "None";
    }

    method SaveBestTime()
      modifies this`savedBest
      ensures savedBest == Some(BestRecord(bestTime, bestPlayer))
    {
      savedBest := Some(BestRecord(bestTime, bestPlayer));
    }

    /** A missing file or malformed JSON gives an empty list. */
    method LoadPlayerData(file: Option<seq<string>>)
      modifies this`playerList
      ensures playerList == (if file.Some? then file.value else [])
    {
      match file
      case Some(names) => playerList := names;
      case None => playerList := [];
    }

    /** Writes the first five names; the list in memory keeps all of them. */
    method SavePlayerData()
      modifies this`savedPlayers
      ensures savedPlayers == Some(Persisted(playerList))
    {
      savedPlayers := Some(Persisted(playerList));
    }

    /** A fresh session: bar and ball in their start places, clock at zero,
        countdown from 3, not over. The names and records are untouched. */
    method SetupGame()
      requires Valid()
      modifies this
      ensures Valid() && NewSession() && fresh(bar) && fresh(ball)
      ensures PlayersKept() && RecordsKept()
    {
      bar, ball := StartBodies();
      timeElapsed := 0.0;
      countdown := CountdownStart;
      state := Countdown;
      gameOver := false;
    }

    /** What a press on the select screen does to the game, by the button
        that takes it (see SelectClick). */
    twostate predicate SelectNamePressed(x: real, y: real)
      reads this, bar, ball
    {
      match SelectClick(old(playerList), x, y)
      case PickName(i) =>
        i < |old(playerList)| && playerName == old(playerList)[i] && playerList == old(playerList)
        && savedPlayers == old(savedPlayers) && NewSession() && fresh(bar) && fresh(ball)
      case DeleteName(i) =>
        i < |old(playerList)| && playerList == RemoveAt(old(playerList), i)
        && savedPlayers == Some(Persisted(playerList))
        && playerName == old(playerName) && state == SelectName && SessionKept()
      case NewName =>
        state == EnterName && PlayersKept() && SessionKept()
      case Miss =>
        state == SelectName && PlayersKept() && SessionKept()
    }

    /** What a press on the name-entry screen does to the game: the name is
        edited (see EditName); then Done, with a non-empty name, remembers
        the name and starts a session. */
    twostate predicate EnterNamePressed(x: real, y: real)
      reads this, bar, ball
    {
      var name := EditName(old(playerName), x, y);
      playerName == name &&
      if DoneButton().IsClicked(x, y) && name != [] then
        playerList == Remember(old(playerList), name)
        && savedPlayers == (if name in old(playerList) then old(savedPlayers) else Some(Persisted(playerList)))
        && NewSession() && fresh(bar) && fresh(ball)
      else
        playerList == old(playerList) && savedPlayers == old(savedPlayers)
        && state == EnterName && SessionKept()
    }

    /** Presses only matter on the select and name-entry screens. */
    method OnMousePress(x: real, y: real)
      requires Valid()
      modifies this
      ensures Valid() && RecordsKept()
      ensures old(state) == SelectName ==> SelectNamePressed(x, y)
      ensures old(state) == EnterName ==> EnterNamePressed(x, y)
      ensures old(state) == Countdown || old(state) == Playing ==> unchanged(this)
    {
      if state == SelectName {
        PressOnSelectName(x, y);
      } else if state == EnterName {
        PressOnEnterName(x, y);
      }
    }

    /** The rows are walked in order and the first button hit acts. */
    method PressOnSelectName(x: real, y: real)
      requires Valid() && state == SelectName
      modifies this
      ensures Valid() && RecordsKept() && SelectNamePressed(x, y)
    {
      var i := 0;
      while i < |playerList|
        invariant 0 <= i <= |playerList|
        invariant unchanged(this)
        invariant SelectClickFrom(playerList, x, y, i) == SelectClick(playerList, x, y)
      {
        if NameButton(i, playerList[i]).IsClicked(x, y) {
          playerName := playerList[i];
          SetupGame();
          return;
        }
        if DeleteButton(i).IsClicked(x, y) {
          playerList := playerList[..i] + playerList[i + 1..];
          SavePlayerData();
          return;
        }
        i := i + 1;
      }
      if NewNameButton().IsClicked(x, y) {
        state := EnterName;
      }
    }

    /** Done, with a non-empty name, puts the name at the front of the list
        unless it is there already, and starts a session. */
    method PressOnEnterName(x: real, y: real)
      requires Valid() && state == EnterName
      modifies this
      ensures Valid() && RecordsKept() && EnterNamePressed(x, y)
    {
      ghost var name := EditName(playerName, x, y);
      ghost var names, saved := playerList, savedPlayers;
      EditPlayerName(x, y);
      assert playerName == name;
      if doneButton.IsClicked(x, y) && playerName != [] {
        AcceptName();
        assert playerList == Remember(names, name);
        assert savedPlayers == if name in names then saved else Some(Persisted(playerList));
      }
    }

    /** Done with a non-empty name: the name joins the front of the list
        unless it is there already (only then is the list saved), and a
        session starts. */
    method AcceptName()
      requires Valid()
      modifies this
      ensures Valid() && RecordsKept() && NewSession() && fresh(bar) && fresh(ball)
      ensures playerName == old(playerName)
      ensures playerList == Remember(old(playerList), playerName)
      ensures savedPlayers == if playerName in old(playerList) then old(savedPlayers) else Some(Persisted(playerList))
    {
      if playerName !in playerList {
        playerList := [playerName] + playerList;
        SavePlayerData();
      }
      SetupGame();
    }

    /** Every key is tried, then SPACE, then BACKSPACE, each on the name the
        previous ones left. */
    method EditPlayerName(x: real, y: real)
      modifies this`playerName
      ensures playerName == EditNameOn(old(playerName), keyboard, spaceButton, backspaceButton, x, y)
    {
      var name := playerName;
      for k := 0 to |keyboard|
        invariant TypeKeys(name, keyboard[k..], x, y) == TypeKeys(playerName, keyboard, x, y)
      {
        if keyboard[k].IsClicked(x, y) && |name| < MaxNameLength {
          name := name + keyboard[k].text;
        }
      }
      assert keyboard[|keyboard|..] == [];
      playerName := name;
      if spaceButton.IsClicked(x, y) {
        playerName := playerName + " ";
      }
      if backspaceButton.IsClicked(x, y) {
        playerName := DropLast(playerName);
      }
    }

    /** A countdown tick: the countdown drops by the elapsed time, and play
        starts exactly when it reaches zero or less. */
    twostate predicate CountedDown(deltaTime: real)
      reads this
    {
      countdown == old(countdown) - deltaTime && (state == Playing <==> countdown <= 0.0)
      && (state == Countdown || state == Playing)
      && timeElapsed == old(timeElapsed) && gameOver == old(gameOver) && bar == old(bar) && ball == old(ball)
      && PlayersKept() && RecordsKept()
    }

    /** A tick of live play: the clock runs; the ball and the bar move; the
        ball turns back when it is at or below the bar's top within the bar's
        width; a ball wholly below the screen ends the run, and a run longer
        than the best time becomes the best time, saved at once. */
    twostate predicate Played(deltaTime: real)
      reads this, ball, bar
    {
      old(ball) != null && old(bar) != null && ball == old(ball) && bar == old(bar)
      && state == Playing && countdown == old(countdown) && PlayersKept()
      && timeElapsed == old(timeElapsed) + deltaTime
      && ball.centerX == old(ball.centerX) + old(ball.changeX)
      && ball.centerY == old(ball.centerY) + old(ball.changeY)
      && ball.changeX == (if ball.Left() <= 0.0 || ball.Right() >= ScreenWidth then -old(ball.changeX) else old(ball.changeX))
      && (var wallY := if ball.Top() >= ScreenHeight then -old(ball.changeY) else old(ball.changeY);
          ball.changeY == if PaddleHit(ball, bar) then -wallY else wallY)
      && bar.centerX == ClampBarX(old(bar.centerX) + old(bar.changeX))
      && bar.centerY == old(bar.centerY) && bar.changeX == old(bar.changeX)
      && gameOver == (ball.Top() < 0.0)
      && (if gameOver then
            BestRecord(bestTime, bestPlayer) == NewBest(BestRecord(old(bestTime), old(bestPlayer)), timeElapsed, playerName)
            && savedBest == (if timeElapsed > old(bestTime) then Some(BestRecord(bestTime, bestPlayer)) else old(savedBest))
          else RecordsKept())
    }

    /** A tick runs the countdown or live play; on the name screens and after
        the run is lost it changes nothing. The best time never goes down. */
    method OnUpdate(deltaTime: real)
      requires Valid()
      modifies this, ball, bar
      ensures Valid()
      ensures bestTime >= old(bestTime)
      ensures old(state) == Countdown ==> CountedDown(deltaTime) && unchanged(ball) && unchanged(bar)
      ensures old(state) == Playing && !old(gameOver) ==> Played(deltaTime)
      ensures old(state) == SelectName || old(state) == EnterName || old(gameOver) ==>
        unchanged(this) && (ball != null ==> unchanged(ball)) && (bar != null ==> unchanged(bar))
    {
      if state == Countdown {
        countdown := countdown - deltaTime;
        if countdown <= 0.0 {
          state := Playing;
        }
      } else if state == Playing && !gameOver {
        PlayTick(deltaTime);
      }
    }

    /** Live play: the clock runs, the bodies move, and a lost ball ends it. */
    method PlayTick(deltaTime: real)
      requires Valid() && state == Playing && !gameOver
      modifies this, ball, bar
      ensures Valid() && Played(deltaTime)
    {
      timeElapsed := timeElapsed + deltaTime;
      MoveBodies(ball, bar);
      EndIfLost();
    }

    /** The run ends when the ball is wholly below the screen; a run longer
        than the best time replaces it and is saved. */
    method EndIfLost()
      requires ball != null
      modifies this`bestTime, this`bestPlayer, this`savedBest, this`gameOver
      ensures gameOver == (ball.Top() < 0.0 || old(gameOver))
      ensures if ball.Top() < 0.0 then
            BestRecord(bestTime, bestPlayer) == NewBest(BestRecord(old(bestTime), old(bestPlayer)), timeElapsed, playerName)
            && savedBest == (if timeElapsed > old(bestTime) then Some(BestRecord(bestTime, bestPlayer)) else old(savedBest))
          else RecordsKept()
    {
      if ball.Top() < 0.0 {
        if timeElapsed > bestTime {
          bestTime := timeElapsed;
          bestPlayer := playerName;
          SaveBestTime();
        }
        gameOver := true;
      }
    }

    /** LEFT and RIGHT need a session (they steer the bar); ENTER restarts a
        lost game. */
    method OnKeyPress(key: Key)
      requires Valid()
      requires key == LeftKey || key == RightKey ==> bar != null
      modifies this, bar
      ensures Valid() && PlayersKept() && RecordsKept()
      ensures key == LeftKey || key == RightKey ==>
        unchanged(this) && bar.changeX == (if key == LeftKey then -PaddleSpeed else PaddleSpeed)
        && bar.centerX == old(bar.centerX) && bar.centerY == old(bar.centerY)
      ensures key == EnterKey && old(gameOver) ==> NewSession() && fresh(bar) && fresh(ball)
      ensures key == OtherKey || (key == EnterKey && !old(gameOver)) ==>
        unchanged(this) && (bar != null ==> unchanged(bar))
    {
      if key == LeftKey {
        bar.changeX := -PaddleSpeed;
      } else if key == RightKey {
        bar.changeX := PaddleSpeed;
      } else if key == EnterKey && gameOver {
        SetupGame();
      }
    }

    /** Releasing LEFT or RIGHT stops the bar. */
    method OnKeyRelease(key: Key)
      requires key == LeftKey || key == RightKey ==> bar != null
      modifies bar
      ensures key == LeftKey || key == RightKey ==>
        bar.changeX == 0.0 && bar.centerX == old(bar.centerX) && bar.centerY == old(bar.centerY)
      ensures key == EnterKey || key == OtherKey ==> bar != null ==> unchanged(bar)
    {
      if key == LeftKey || key == RightKey {
        bar.changeX := 0.0;
      }
    }
  }
}
