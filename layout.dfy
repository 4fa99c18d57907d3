/** Where the game's buttons are: the on-screen keyboard and its three
    controls (name entry), and the rows of saved names with their delete
    buttons plus the "New Name" button (name selection). */
module Layout {
  import opened Geometry

  const KeyboardLayout: seq<string> := ["QWERTYUIOP", "ASDFGHJKL", "ZXCVBNM"]
  const KeySpacing: real := 50.0
  const KeySize: real := 40.0
  /** Height of the centre of the first keyboard row. */
  const KeyboardTop: real := ScreenHeight / 2.0 - 50.0

  /** Index in the keyboard of the first key of row r. */
  function RowStart(r: nat): nat
    requires r <= |KeyboardLayout|
  {
    if r == 0 then 0 else RowStart(r - 1) + |KeyboardLayout[r - 1]|
  }

  const KeyCount: nat := RowStart(|KeyboardLayout|)

  /** The row of the k-th key. */
  function RowOf(k: nat): (r: nat)
    requires k < KeyCount
    ensures r < |KeyboardLayout| && RowStart(r) <= k < RowStart(r + 1)
  {
    if k < RowStart(1) then 0 else if k < RowStart(2) then 1 else 2
  }

  /** The column of the k-th key within its row. */
  function ColOf(k: nat): (c: nat)
    requires k < KeyCount
    ensures c < |KeyboardLayout[RowOf(k)]|
  {
    k - RowStart(RowOf(k))
  }

  /** The key of column c of row r: rows are centred on the screen, one key
      spacing apart in both directions, each key labelled by its letter. */
  function KeyButton(r: nat, c: nat): Button
    requires r < |KeyboardLayout| && c < |KeyboardLayout[r]|
  {
    var startX := ScreenWidth / 2.0 - |KeyboardLayout[r]| as real * KeySpacing / 2.0 + KeySpacing / 2.0;
    Button(startX + c as real * KeySpacing, KeyboardTop - r as real * KeySpacing, KeySize, KeySize,
           [KeyboardLayout[r][c]])
  }

  /** The keyboard, row after row. */
  function KeyboardButtons(): (keys: seq<Button>)
    ensures |keys| == KeyCount
  {
    seq(KeyCount, k requires 0 <= k < KeyCount => KeyButton(RowOf(k), ColOf(k)))
  }

  /** The letter typed by the k-th key. */
  function Letter(k: nat): char
    requires k < KeyCount
  {
    KeyboardLayout[RowOf(k)][ColOf(k)]
  }

  /** Key (r, c) is the key at index RowStart(r) + c of the keyboard. */
  lemma KeyIndex(r: nat, c: nat)
    requires r < |KeyboardLayout| && c < |KeyboardLayout[r]|
    ensures RowStart(r) + c < KeyCount
    ensures RowOf(RowStart(r) + c) == r && ColOf(RowStart(r) + c) == c
    ensures KeyboardButtons()[RowStart(r) + c] == KeyButton(r, c)
  {
    RowStarts();
    var k := RowStart(r) + c;
    assert RowOf(k) == r;
  }

  /** The rows have 10, 9 and 7 keys. */
  lemma RowStarts()
    ensures RowStart(1) == 10 && RowStart(2) == 19 && RowStart(3) == 26 && KeyCount == 26
  {
    assert |KeyboardLayout[0]| == 10 && |KeyboardLayout[1]| == 9 && |KeyboardLayout[2]| == 7;
  }

  /** The keys of row r, left to right. */
  function RowKeys(r: nat): (keys: seq<Button>)
    requires r < |KeyboardLayout|
    ensures |keys| == |KeyboardLayout[r]|
  {
    seq(|KeyboardLayout[r]|, c requires 0 <= c < |KeyboardLayout[r]| => KeyButton(r, c))
  }

  /** The keys of the rows above row r, row after row. */
  function KeysBefore(r: nat): (keys: seq<Button>)
    requires r <= |KeyboardLayout|
    ensures |keys| == RowStart(r)
  {
    if r == 0 then [] else KeysBefore(r - 1) + RowKeys(r - 1)
  }

  /** Row r occupies indices RowStart(r) up to RowStart(r + 1) of the keyboard. */
  lemma RowKeysInKeyboard(r: nat)
    requires r < |KeyboardLayout|
    ensures RowStart(r + 1) <= KeyCount
    ensures KeyboardButtons()[RowStart(r)..RowStart(r + 1)] == RowKeys(r)
  {
    RowStarts();
    var row := KeyboardButtons()[RowStart(r)..RowStart(r + 1)];
    forall c | 0 <= c < |row|
      ensures row[c] == RowKeys(r)[c]
    {
      KeyIndex(r, c);
    }
  }

  /** Laying the rows out one after another gives the keyboard. */
  lemma {:induction false} KeysBeforeIsPrefix(r: nat)
    requires r <= |KeyboardLayout|
    ensures RowStart(r) <= KeyCount
    ensures KeysBefore(r) == KeyboardButtons()[..RowStart(r)]
  {
    RowStarts();
    if r > 0 {
      KeysBeforeIsPrefix(r - 1);
      RowKeysInKeyboard(r - 1);
      var all := KeyboardButtons();
      assert all[..RowStart(r)] == all[..RowStart(r - 1)] + all[RowStart(r - 1)..RowStart(r)];
    }
  }

  function SpaceButton(): Button
  {
    Button(ScreenWidth / 2.0, KeyboardTop - |KeyboardLayout| as real * KeySpacing - 20.0, 200.0, 40.0, "SPACE")
  }

  function BackspaceButton(): Button
  {
    Button(ScreenWidth / 2.0, KeyboardTop - |KeyboardLayout| as real * KeySpacing - 70.0, 200.0, 40.0, "BACKSPACE")
  }

  function DoneButton(): Button
  {
    Button(ScreenWidth / 2.0 + 200.0, ScreenHeight / 2.0 + 50.0, 100.0, 40.0, "Done")
  }

  /** Every key is labelled by exactly the letter it types. */
  lemma KeyTypesItsLetter(k: nat)
    requires k < KeyCount
    ensures KeyboardButtons()[k].text == [Letter(k)]
    ensures 'A' <= Letter(k) <= 'Z'
  {
  }

  /** No two keys of the keyboard take the same click. */
  lemma KeysApart(i: nat, j: nat)
    requires i < KeyCount && j < KeyCount && i != j
    ensures Apart(KeyboardButtons()[i], KeyboardButtons()[j])
  {
    var ri, rj := RowOf(i), RowOf(j);
    var a, b := KeyboardButtons()[i], KeyboardButtons()[j];
    if ri != rj {
      assert a.y - b.y == (rj as int - ri as int) as real * KeySpacing;
    } else {
      assert a.x - b.x == (ColOf(i) as int - ColOf(j) as int) as real * KeySpacing;
    }
  }

  /** Every key is a 40 by 40 square centred between heights 150 and 250. */
  lemma KeyBounds(k: nat)
    requires k < KeyCount
    ensures var b := KeyboardButtons()[k];
      b.width == KeySize && b.height == KeySize && KeyboardTop - 2.0 * KeySpacing <= b.y <= KeyboardTop
  {
    var r := RowOf(k);
    assert KeyboardButtons()[k].y == KeyboardTop - r as real * KeySpacing;
  }

  /** No key shares a click with SPACE, BACKSPACE or Done, nor do those three
      with each other. */
  lemma ControlsApart(k: nat)
    requires k < KeyCount
    ensures Apart(KeyboardButtons()[k], SpaceButton())
    ensures Apart(KeyboardButtons()[k], BackspaceButton())
    ensures Apart(KeyboardButtons()[k], DoneButton())
    ensures Apart(SpaceButton(), BackspaceButton())
    ensures Apart(SpaceButton(), DoneButton())
    ensures Apart(BackspaceButton(), DoneButton())
  {
    KeyBounds(k);
  }

  /** Centre height of the i-th row of the select screen. */
  function RowY(i: nat): real
  {
    ScreenHeight / 2.0 + 100.0 - i as real * 50.0
  }

  /** The button that picks saved name number i. */
  function NameButton(i: nat, name: string): Button
  {
    Button(ScreenWidth / 2.0 - 100.0, RowY(i), 200.0, 40.0, name)
  }

  /** The "X" button that deletes saved name number i. */
  function DeleteButton(i: nat): Button
  {
    Button(ScreenWidth / 2.0 + 150.0, RowY(i), 40.0, 40.0, "X")
  }

  function NewNameButton(): Button
  {
    Button(ScreenWidth / 2.0, ScreenHeight / 2.0 - 100.0, 200.0, 40.0, "New Name")
  }

  /** Buttons of different rows never share a click, and in one row the name
      button and its "X" never do either. */
  lemma RowsApart(i: nat, j: nat, a: string, b: string)
    ensures Apart(NameButton(i, a), DeleteButton(j))
    ensures i != j ==> Apart(NameButton(i, a), NameButton(j, b))
    ensures i != j ==> Apart(DeleteButton(i), DeleteButton(j))
  {
    if i != j {
      assert RowY(i) - RowY(j) == (j as real - i as real) * 50.0;
    }
  }

  /** "New Name" shares clicks with no "X" and with no name row but the fifth
      (index 4), which it overlaps. */
  lemma NewNameOnlyOverlapsFifthRow(i: nat, a: string)
    ensures Apart(DeleteButton(i), NewNameButton())
    ensures i != 4 <==> Apart(NameButton(i, a), NewNameButton())
  {
    if i < 4 {
      assert RowY(i) - RowY(4) == (4 - i) as real * 50.0;
    } else if i > 4 {
      assert RowY(4) - RowY(i) == (i - 4) as real * 50.0;
    }
  }
}
